/**
  The HTTP side of main.go: `server.handler` routes on the request method,
  `server.post` reads the body and publishes it, and `server.get` subscribes
  and then writes one framed event per payload until a write fails.

  The request arrives already parsed; the body read is an input that either
  yields the bytes or fails. A handler's effect is returned as a value: the
  response status and headers, the registry afterwards, the deliveries a
  publish made, and the registration a GET now streams from.
*/
module Server {
  import opened Wrappers
  import opened Octets
  import opened Bus
  import Frame

  /** A parsed request; `body` is what reading the whole body produced.
      Only a POST reads its body, so for every other method `body` is
      ignored. */
  datatype Request = Request(verb: string, path: string, body: Result<Bytes, string>)

  datatype Response = Response(status: int, headers: map<string, string>)

  /** Everything a handler call does. `stream` is the registration whose
      endpoint a GET goes on to drain. */
  datatype Exchange = Exchange(
    response: Response,
    bus: Bus,
    deliveries: set<Delivery>,
    stream: Option<Registration>)

  const AllowOrigin := "Access-Control-Allow-Origin"
  const CacheControl := "Cache-Control"
  const ContentType := "Content-Type"

  /** server.handler: set the permissive cross-origin header, then route
      GET to the stream, POST to publish, and anything else to 404. */
  function Handler(b: Bus, req: Request): (e: Exchange)
    ensures AllowOrigin in e.response.headers && e.response.headers[AllowOrigin] == "*"
    ensures req.verb != "GET" && req.verb != "POST" ==>
      e.response.status == 404 && e.bus == b && e.deliveries == {} && e.stream == None
    ensures req.verb == "POST" && req.body.Failure? ==>
      e.response.status == 400 && e.bus == b && e.deliveries == {} && e.stream == None
    ensures req.verb == "POST" && req.body.Success? ==>
      && e.response.status == 200 && e.bus == b && e.stream == None
      && (forall d :: d in e.deliveries <==> d.sub in Members(b, req.path) && d.payload == req.body.value)
    ensures req.verb != "GET" ==> e.response.headers.Keys == {AllowOrigin}
    ensures req.verb == "GET" ==>
      && e.response.status == 200
      && e.response.headers == map[AllowOrigin := "*", CacheControl := "no-cache", ContentType := "text/event-stream"]
      && e.deliveries == {}
      && e.stream.Some? && e.stream.value.channel == req.path
      && Members(e.bus, req.path) == Members(b, req.path) + {e.stream.value.sub}
      && (forall c :: c != req.path ==> Members(e.bus, c) == Members(b, c))
    ensures req.verb == "GET" && Valid(b) ==> forall c :: e.stream.value.sub !in Members(b, c)
    ensures Valid(b) ==> Valid(e.bus)
  {
    var headers := map[AllowOrigin := "*"];
    if req.verb == "GET" then Get(b, headers, req.path)
    else if req.verb == "POST" then Post(b, headers, req)
    else Exchange(Response(404, headers), b, {}, None)
  }

  /** server.get up to the stream loop: the event-stream headers, then
      subscribe to the request path. */
  function Get(b: Bus, headers: map<string, string>, path: string): (e: Exchange)
    ensures e.response.headers == headers[CacheControl := "no-cache"][ContentType := "text/event-stream"]
    ensures e.stream.Some? && e.stream.value.channel == path
    ensures e.deliveries == {}
    ensures Members(e.bus, path) == Members(b, path) + {e.stream.value.sub}
    ensures forall c :: c != path ==> Members(e.bus, c) == Members(b, c)
    ensures Valid(b) ==> forall c :: e.stream.value.sub !in Members(b, c)
    ensures Valid(b) ==> Valid(e.bus)
  {
    var s := Subscribe(b, path);
    Exchange(Response(200, headers[CacheControl := "no-cache"][ContentType := "text/event-stream"]),
             s.bus, {}, Some(s.reg))
  }

  /** server.post: a failed body read answers 400 and publishes nothing;
      otherwise the body is published to the request path and 200 follows. */
  function Post(b: Bus, headers: map<string, string>, req: Request): (e: Exchange)
    ensures e.bus == b && e.stream == None && e.response.headers == headers
    ensures req.body.Failure? ==> e.response.status == 400 && e.deliveries == {}
    ensures req.body.Success? ==> e.response.status == 200 && |e.deliveries| == |Members(b, req.path)|
    ensures req.body.Success? ==>
      forall d :: d in e.deliveries <==> d.sub in Members(b, req.path) && d.payload == req.body.value
  {
    match req.body
    case Failure(_) => Exchange(Response(400, headers), b, {}, None)
    case Success(data) =>
      PublishExactlyOnce(b, req.path, data);
      Exchange(Response(200, headers), b, Publish(b, req.path, data), None)
  }

  /** What the stream loop of server.get produced: the events written, in
      order, and whether it stopped because a write failed. */
  datatype Stream = Stream(events: seq<Bytes>, broken: bool)

  /** The stream loop of server.get. `inbox` is what arrived on the
      endpoint, in order; the response sink accepts `acceptedWrites` writes
      and fails the next one, which ends the loop. The deferred release
      that follows is `Bus.Release`; `GetThenCloseRestores` states its
      effect. */
  method Pump(inbox: seq<Bytes>, acceptedWrites: nat) returns (out: Stream)
    ensures out.broken <==> acceptedWrites < |inbox|
    ensures |out.events| == if out.broken then acceptedWrites else |inbox|
    ensures forall i :: 0 <= i < |out.events| ==> out.events[i] == Frame.Encode(inbox[i])
    ensures forall i :: 0 <= i < |out.events| ==> Frame.Decode(out.events[i]) == Some(inbox[i])
  {
    var events: seq<Bytes> := [];
    var i := 0;
    while i < |inbox|
      invariant i <= |inbox| && i <= acceptedWrites
      invariant |events| == i
      invariant forall k :: 0 <= k < i ==> events[k] == Frame.Encode(inbox[k])
      invariant forall k :: 0 <= k < i ==> Frame.Decode(events[k]) == Some(inbox[k])
    {
      var event := Frame.Encode(inbox[i]);
      if i == acceptedWrites {
        return Stream(events, true);
      }
      Frame.DecodeEncode(inbox[i]);
      events := events + [event];
      i := i + 1;
    }
    return Stream(events, false);
  }

  /** A GET's deferred release restores the channel map it found, when
      only publishes ran between the GET and its release. The stream loop
      writes only after a payload arrives, so at least one publish
      precedes the failed write that ends it. The handler subscribes a
      fresh endpoint, publishes leave the registry alone, and the release
      removes exactly that endpoint. */
  lemma {:induction false} GetThenCloseRestores(b: Bus, req: Request, ops: seq<Op>)
    requires Valid(b)
    requires req.verb == "GET"
    requires forall i :: 0 <= i < |ops| ==> ops[i].Published?
    ensures Handler(b, req).stream.Some?
    ensures Release(Run(Handler(b, req).bus, ops), Handler(b, req).stream.value).subs == b.subs
  {
    RunPublishesOnly(Handler(b, req).bus, ops);
    SubscribeThenRelease(b, req.path);
  }

  /** A request whose method is neither GET nor POST leaves every
      subscriber of every channel in place. */
  lemma OtherVerbNoEffect(b: Bus, req: Request, channel: Channel)
    requires req.verb != "GET" && req.verb != "POST"
    ensures Members(Handler(b, req).bus, channel) == Members(b, channel)
    ensures Handler(b, req).response.status == 404
  {
  }

  /** The bytes of "hello". */
  const Hello: Bytes := [0x68, 0x65, 0x6C, 0x6C, 0x6F]

  /** The worked example: one subscriber on /room1 receives exactly the
      frame "data: hello\n\n" for a POST of "hello" to /room1, and nothing
      from a POST of any payload to /room2. A GET never reads its body, so
      the body the GET carries here is immaterial. */
  lemma RoomScenario(hi: Bytes)
    ensures
      var g := Handler(Empty, Request("GET", "/room1", Failure("unread")));
      var p1 := Handler(g.bus, Request("POST", "/room1", Success(Hello)));
      var p2 := Handler(g.bus, Request("POST", "/room2", Success(hi)));
      && p1.deliveries == {Delivery(g.stream.value.sub, Hello)}
      && Frame.Encode(Hello) == [0x64, 0x61, 0x74, 0x61, 0x3A, 0x20, 0x68, 0x65, 0x6C, 0x6C, 0x6F, 0x0A, 0x0A]
      && p2.deliveries == {}
  {
  }
}
